/** Depth-1 listing of the backend: `immediateChildRemote`, `objectFromFile` and
    `List`, and how listing and addressing undo each other. */
module Listing {
  import opened Wrappers
  import opened Paths
  import opened Wire
  import opened Paging
  import opened Addressing

  // ---------------------------------------------------------------------
  // The depth-1 filter
  // ---------------------------------------------------------------------

  /** The string tests of `immediateChildRemote`: the last segment when the entry
      sits directly below the parent. */
  function RelativeName(entryPath: string, parentPath: string): Option<string> {
    if entryPath == parentPath then None
    else if !HasPrefix(entryPath, parentPath + "/")
         && (parentPath != "/" || Count(TrimPrefix(entryPath, "/"), '/') > 0) then None
    else
      var rel := TrimPrefix(TrimPrefix(entryPath, parentPath), "/");
      if Contains(rel, '/') then None else Some(rel)
  }

  /** `child` is `parent` plus exactly one segment. */
  predicate OneBelow(child: seq<string>, parent: seq<string>) {
    |child| == |parent| + 1 && parent <= child
  }

  /** On canonical paths the prefix, count and contains tests decide exactly
      segment-level parenthood, including below "/". */
  lemma FilterIsParenthood(child: seq<string>, parent: seq<string>)
    requires AllNames(child) && AllNames(parent)
    ensures RelativeName(Abs(child), Abs(parent)) ==
            if OneBelow(child, parent) then Some(child[|parent|]) else None
  {
    AbsInjective(child, parent);
    if child == parent {
    } else if parent == [] {
      FilterAtRoot(child);
    } else {
      FilterBelow(child, parent);
    }
  }

  lemma FilterAtRoot(child: seq<string>)
    requires AllNames(child) && child != []
    ensures RelativeName(Abs(child), Abs([])) == if |child| == 1 then Some(child[0]) else None
  {
    var e := Abs(child);
    assert Abs([]) == "/" && e == "/" + Join(child) && e[1..] == Join(child);
    SplitRender(Parsed(true, child));
    SplitRender(Parsed(true, []));
    PrefixIsSegmentPrefix(e, "/");
    assert !HasPrefix(e, "//") by {
      if Split("/") < Split(e) { assert false; }
    }
    SplitJoin(child);
    SlashCount(Join(child));
    AbsInjective(child, []);
    if |child| == 1 {
      SlashFreeTrim(child[0]);
    }
  }

  lemma SlashFreeTrim(s: string)
    requires '/' !in s
    ensures TrimPrefix(s, "/") == s
  {
    if s != "" {
      assert s[0] in s && "/"[0] == '/';
    }
  }

  lemma FilterBelow(child: seq<string>, parent: seq<string>)
    requires AllNames(child) && AllNames(parent) && child != parent && parent != []
    ensures RelativeName(Abs(child), Abs(parent)) ==
            if OneBelow(child, parent) then Some(child[|parent|]) else None
  {
    var e, p := Abs(child), Abs(parent);
    AbsInjective(child, parent);
    AbsInjective(parent, []);
    assert Abs([]) == "/";
    PrefixTest(child, parent);
    if parent < child {
      BelowParent(child, parent);
      var rest := child[|parent|..];
      SplitJoin(rest);
      SlashCount(Join(rest));
    }
  }

  lemma BelowParent(child: seq<string>, parent: seq<string>)
    requires parent != [] && parent < child
    ensures Abs(child) == Abs(parent) + "/" + Join(child[|parent|..])
    ensures TrimPrefix(Abs(child), Abs(parent)) == "/" + Join(child[|parent|..])
  {
    var rest := child[|parent|..];
    assert child == parent + rest;
    JoinConcat(parent, rest);
    assert Abs(child) == Abs(parent) + ("/" + Join(rest));
  }

  lemma PrefixTest(child: seq<string>, parent: seq<string>)
    requires AllNames(child) && AllNames(parent) && parent != []
    ensures HasPrefix(Abs(child), Abs(parent) + "/") <==> parent < child
  {
    PrefixIsSegmentPrefix(Abs(child), Abs(parent));
    SplitRender(Parsed(true, parent));
    SplitRender(Parsed(true, child));
    var s, t := Split(Abs(parent)), Split(Abs(child));
    assert s[1..] == parent;
    if child != [] {
      assert t[1..] == child;
      if s < t { assert t[1..|s|] == s[1..]; assert parent == child[..|parent|]; }
    }
  }

  // ---------------------------------------------------------------------
  // List
  // ---------------------------------------------------------------------

  datatype Entry = Entry(file: Option<File>, directory: Option<Directory>)

  datatype DirEntry =
    | ObjectEntry(remote: string, path: string, meta: Meta)
    | SubDir(remote: string, mtime: Time)

  datatype ListError = DirNotFound | ListFailed(path: string, outcome: Outcome)

  function EntryPath(e: Entry): Option<string> {
    match e.file
    case Some(file) => Some(file.path)
    case None => match e.directory case Some(d) => Some(d.path) case None => None
  }

  function RemoteOf(f: Fs, dir: string, name: string): string {
    var rel := Join(Map(f.dec, Split(name)));
    if dir == "" then rel else JoinTwo(dir, rel)
  }

  function ImmediateChildRemote(f: Fs, dir: string, parentPath: string, e: Entry): Option<string> {
    match EntryPath(e)
    case None => None
    case Some(p) =>
      match RelativeName(CleanPath(p), parentPath)
      case None => None
      case Some(name) => Some(RemoteOf(f, dir, name))
  }

  function ObjectFromFile(f: Fs, remote: string, file: File): DirEntry {
    ObjectEntry(remote, CleanPath(file.path), MetaOf(f.parseMtime, file))
  }

  /** What one entry contributes to the listing of `dir`, stated on segments: an
      entry one segment below the directory appears once, under its decoded name,
      and a file carries its canonical path; anything else contributes nothing. */
  function Surfaced(f: Fs, dir: string, parent: seq<string>, e: Entry): seq<DirEntry> {
    match EntryPath(e)
    case None => []
    case Some(p) =>
      var segs := WireSegs(p);
      if !OneBelow(segs, parent) then []
      else
        var remote := RemoteOf(f, dir, segs[|parent|]);
        match e.file
        case Some(file) => [ObjectEntry(remote, Abs(segs), MetaOf(f.parseMtime, file))]
        case None => match e.directory
                     case Some(d) => [SubDir(remote, f.parseMtime(d.mtime))]
                     case None => []
  }

  function Children(f: Fs, dir: string, parent: seq<string>, es: seq<Entry>): seq<DirEntry> {
    if es == [] then []
    else Children(f, dir, parent, es[..|es| - 1]) + Surfaced(f, dir, parent, es[|es| - 1])
  }

  /** The listing of one path: List's callback never refuses an entry. */
  function WorldAt(broker: (string, nat, Cursor) -> Reply<Entry>, path: string, digest: Cursor -> int, maxPages: int): World<Entry> {
    Collecting((k, c) => broker(path, k, c), digest, maxPages)
  }

  /** The entry sits one segment below the parent. */
  predicate IsChild(parent: seq<string>, e: Entry) {
    if e.file.Some? then OneBelow(WireSegs(e.file.value.path), parent)
    else e.directory.Some? && OneBelow(WireSegs(e.directory.value.path), parent)
  }

  /** `x` stands for the entry `e`, a child of the parent: under the decoded name of
      its last segment, as a file or a directory as the entry is, with the entry's own
      metadata and, for a file, its canonical path. */
  predicate StandsFor(f: Fs, dir: string, parent: seq<string>, x: DirEntry, e: Entry) {
    && IsChild(parent, e)
    && match e.file
       case Some(file) =>
         && x.ObjectEntry?
         && x.remote == RemoteOf(f, dir, WireSegs(file.path)[|parent|])
         && x.path == Abs(WireSegs(file.path))
         && x.meta.uuid == file.uuid && x.meta.size == file.size && x.meta.mtime == f.parseMtime(file.mtime)
         && x.meta.mode == file.mode && x.meta.sha == file.sha && x.meta.mime == file.mime
       case None =>
         && x.SubDir?
         && x.remote == RemoteOf(f, dir, WireSegs(e.directory.value.path)[|parent|])
         && x.mtime == f.parseMtime(e.directory.value.mtime)
  }

  function Wanted(parent: seq<string>): Entry -> bool { e => IsChild(parent, e) }

  function Goes(f: Fs, dir: string, parent: seq<string>): (DirEntry, Entry) -> bool {
    (x, e) => StandsFor(f, dir, parent, x, e)
  }

  /** The listed entries stand, one for one and in order, for the streamed entries at
      the positions `at`, and those are exactly the children's. */
  ghost predicate Matches(f: Fs, dir: string, parent: seq<string>, es: seq<Entry>, xs: seq<DirEntry>, at: seq<nat>) {
    && Picks(Wanted(parent), es, at)
    && Pairs(Goes(f, dir, parent), xs, es, at)
  }

  /** A listing of the entries: every child once, in their order, and nothing else. */
  ghost predicate Lists(f: Fs, dir: string, parent: seq<string>, es: seq<Entry>, xs: seq<DirEntry>) {
    exists at :: Matches(f, dir, parent, es, xs, at)
  }

  predicate Increasing(at: seq<nat>) {
    forall i, j :: 0 <= i < j < |at| ==> at[i] < at[j]
  }

  /** `at` are, in order, all the positions of wanted elements. */
  ghost predicate Picks<E>(wanted: E -> bool, es: seq<E>, at: seq<nat>) {
    Increasing(at) && forall i: nat :: i in at <==> i < |es| && wanted(es[i])
  }

  /** The elements of `xs` go, one for one, with those of `es` at the positions `at`. */
  ghost predicate Pairs<X, E>(goes: (X, E) -> bool, xs: seq<X>, es: seq<E>, at: seq<nat>) {
    |xs| == |at| && forall k :: 0 <= k < |at| ==> at[k] < |es| && goes(xs[k], es[at[k]])
  }

  lemma PicksNext<E>(wanted: E -> bool, es: seq<E>, at: seq<nat>, e: E)
    requires Picks(wanted, es, at)
    ensures Picks(wanted, es + [e], if wanted(e) then at + [|es|] else at)
  {
    var next := if wanted(e) then at + [|es|] else at;
    forall i: nat ensures i in next <==> i < |es + [e]| && wanted((es + [e])[i]) {
      assert i in next <==> i in at || (wanted(e) && i == |es|);
    }
    assert forall k :: 0 <= k < |at| ==> at[k] in at;
  }

  lemma PairsNext<X, E>(goes: (X, E) -> bool, xs: seq<X>, es: seq<E>, at: seq<nat>, e: E, last: seq<X>)
    requires Pairs(goes, xs, es, at) && (last == [] || (|last| == 1 && goes(last[0], e)))
    ensures Pairs(goes, xs + last, es + [e], if last == [] then at else at + [|es|])
  {
  }

  lemma {:induction false} ChildrenMatch(f: Fs, dir: string, parent: seq<string>, es: seq<Entry>) returns (at: seq<nat>)
    ensures Matches(f, dir, parent, es, Children(f, dir, parent, es), at)
  {
    if es == [] {
      at := [];
    } else {
      var n := |es| - 1;
      at := ChildrenMatch(f, dir, parent, es[..n]);
      at := MatchNext(f, dir, parent, es[..n], Children(f, dir, parent, es[..n]), at, es[n]);
      assert es == es[..n] + [es[n]];
    }
  }

  lemma {:induction false} MatchNext(f: Fs, dir: string, parent: seq<string>, es: seq<Entry>, xs: seq<DirEntry>, at: seq<nat>, e: Entry)
    returns (next: seq<nat>)
    requires Matches(f, dir, parent, es, xs, at)
    ensures Matches(f, dir, parent, es + [e], xs + Surfaced(f, dir, parent, e), next)
  {
    var last := Surfaced(f, dir, parent, e);
    SurfacedStandsFor(f, dir, parent, e);
    PicksNext(Wanted(parent), es, at, e);
    PairsNext(Goes(f, dir, parent), xs, es, at, e, last);
    next := if Wanted(parent)(e) then at + [|es|] else at;
  }

  lemma SurfacedStandsFor(f: Fs, dir: string, parent: seq<string>, e: Entry)
    ensures var xs := Surfaced(f, dir, parent, e);
            if IsChild(parent, e) then |xs| == 1 && StandsFor(f, dir, parent, xs[0], e) else xs == []
  {
  }

  /** Being a listing of the entries leaves no choice. */
  lemma {:induction false} ListsUnique(f: Fs, dir: string, parent: seq<string>, es: seq<Entry>, xs: seq<DirEntry>, ys: seq<DirEntry>)
    requires Lists(f, dir, parent, es, xs) && Lists(f, dir, parent, es, ys)
    ensures xs == ys
  {
    var at :| Matches(f, dir, parent, es, xs, at);
    var bt :| Matches(f, dir, parent, es, ys, bt);
    PicksUnique(Wanted(parent), es, at, bt);
    forall k | 0 <= k < |at| ensures xs[k] == ys[k] { StandsForOne(f, dir, parent, xs[k], ys[k], es[at[k]]); }
  }

  lemma StandsForOne(f: Fs, dir: string, parent: seq<string>, x: DirEntry, y: DirEntry, e: Entry)
    requires StandsFor(f, dir, parent, x, e) && StandsFor(f, dir, parent, y, e)
    ensures x == y
  {
  }

  lemma PicksUnique<E>(wanted: E -> bool, es: seq<E>, at: seq<nat>, bt: seq<nat>)
    requires Picks(wanted, es, at) && Picks(wanted, es, bt)
    ensures at == bt
  {
    SameUpTo(at, bt, |at|);
    SameUpTo(bt, at, |bt|);
  }

  lemma {:induction false} SameUpTo(at: seq<nat>, bt: seq<nat>, k: nat)
    requires Increasing(at) && Increasing(bt) && k <= |at| && forall i: nat :: i in at <==> i in bt
    ensures k <= |bt| && forall j :: 0 <= j < k ==> at[j] == bt[j]
  {
    if k > 0 {
      SameUpTo(at, bt, k - 1);
      assert at[k - 1] in bt;
      var j :| 0 <= j < |bt| && bt[j] == at[k - 1];
      assert j >= k - 1;
      assert bt[k - 1] in at;
      var i :| 0 <= i < |at| && at[i] == bt[k - 1];
    }
  }

  /** What listing `dir` at `path` must return: success exactly when the paged listing
      completes, then every child among all its entries once and in order; a missing
      directory exactly when the call that ended it reported not-found; otherwise the
      way the stream really ended. */
  ghost predicate Listed(f: Fs, dir: string, path: string, w: World<Entry>, r: Result<seq<DirEntry>, ListError>) {
    && (r.Ok? <==> exists k :: Paging.Listing(w, k))
    && (forall k :: Paging.Listing(w, k) ==> r.Ok? && Lists(f, dir, WireSegs(path), Entries(w, k), r.value))
    && (r == Err(DirNotFound) <==> exists n, ys :: EndsAt(w, n, CallError(NotFound), ys))
    && (r.Err? && r.error.ListFailed? ==> r.error.path == path && exists n, ys :: EndsAt(w, n, r.error.outcome, ys))
  }

  lemma StreamDecides(f: Fs, dir: string, path: string, w: World<Entry>, n: nat, out: Outcome, yielded: seq<Entry>)
    requires EndsAt(w, n, out, yielded)
    ensures Listed(f, dir, path, w,
                   if out == Complete then Ok(Children(f, dir, WireSegs(path), yielded))
                   else if out == CallError(NotFound) then Err(DirNotFound)
                   else Err(ListFailed(path, out)))
  {
    StreamCompletesIff(w, n, out, yielded);
    OnlyEnd(w, n, out, yielded);
    var at := ChildrenMatch(f, dir, WireSegs(path), yielded);
  }

  /** Lists the immediate children of `dir`. The broker answers per path, call
      number and cursor. */
  method List(f: Fs, dir: string, broker: (string, nat, Cursor) -> Reply<Entry>, digest: Cursor -> int, maxPages: int)
    returns (r: Result<seq<DirEntry>, ListError>)
    ensures Listed(f, dir, AbsPath(f, dir), WorldAt(broker, AbsPath(f, dir), digest, maxPages), r)
  {
    var path := AbsPath(f, dir);
    AbsPathCanonical(f, dir);
    var w := WorldAt(broker, path, digest, maxPages);
    var out, yielded, _, pages := ListDirectoryStream(w);
    StreamDecides(f, dir, path, w, pages, out, yielded);
    if out != Complete {
      return Err(if out == CallError(NotFound) then DirNotFound else ListFailed(path, out));
    }
    var entries := Filter(f, dir, path, yielded);
    return Ok(entries);
  }

  lemma OnlyEnd<E>(w: World<E>, n: nat, out: Outcome, ys: seq<E>)
    requires EndsAt(w, n, out, ys)
    ensures (exists m, zs :: EndsAt(w, m, CallError(NotFound), zs)) <==> out == CallError(NotFound)
  {
    forall m: nat, zs | EndsAt(w, m, CallError(NotFound), zs) ensures out == CallError(NotFound) {
      EndIsUnique(w, n, out, ys, m, CallError(NotFound), zs);
    }
  }

  /** The callback's work over the streamed entries. */
  method Filter(f: Fs, dir: string, parentPath: string, es: seq<Entry>) returns (entries: seq<DirEntry>)
    requires AllNames(WireSegs(parentPath)) && parentPath == Abs(WireSegs(parentPath))
    ensures entries == Children(f, dir, WireSegs(parentPath), es)
    ensures Lists(f, dir, WireSegs(parentPath), es, entries)
  {
    entries := [];
    for i := 0 to |es|
      invariant entries == Children(f, dir, WireSegs(parentPath), es[..i])
    {
      var e := es[i];
      assert es[..i + 1][..i] == es[..i];
      EntryIsSurfaced(f, dir, parentPath, e);
      var remote := ImmediateChildRemote(f, dir, parentPath, e);
      if remote.Some? {
        if e.file.Some? {
          entries := entries + [ObjectFromFile(f, remote.value, e.file.value)];
        } else if e.directory.Some? {
          entries := entries + [SubDir(remote.value, f.parseMtime(e.directory.value.mtime))];
        }
      }
    }
    assert es[..|es|] == es;
    ghost var at := ChildrenMatch(f, dir, WireSegs(parentPath), es);
  }

  /** What the callback appends for one entry. */
  function Appended(f: Fs, dir: string, parentPath: string, e: Entry): seq<DirEntry> {
    match ImmediateChildRemote(f, dir, parentPath, e)
    case None => []
    case Some(remote) =>
      match e.file
      case Some(file) => [ObjectFromFile(f, remote, file)]
      case None => match e.directory
                   case Some(d) => [SubDir(remote, f.parseMtime(d.mtime))]
                   case None => []
  }

  lemma {:induction false} EntryIsSurfaced(f: Fs, dir: string, parentPath: string, e: Entry)
    requires AllNames(WireSegs(parentPath)) && parentPath == Abs(WireSegs(parentPath))
    ensures Appended(f, dir, parentPath, e) == Surfaced(f, dir, WireSegs(parentPath), e)
  {
    if EntryPath(e).Some? {
      var p := EntryPath(e).value;
      CleanPathCanonical(p);
      FilterIsParenthood(WireSegs(p), WireSegs(parentPath));
    }
  }

  // ---------------------------------------------------------------------
  // Listing and addressing undo each other
  // ---------------------------------------------------------------------

  /** The segments the remote of a listed name stands for: the decoded name pushed on
      the directory, a dot segment moving instead of appending. */
  function Landed(f: Fs, d: seq<string>, x: string): seq<string> {
    Kept(Parsed(RootIsAbsolute(f), Push(RootIsAbsolute(f), CleanRoot(f) + d, x)))
  }

  lemma {:induction false} RemoteOfName(f: Fs, d: seq<string>, name: string)
    requires AllNames(d) && IsName(name) && Segment(f.dec(name))
    ensures RemoteOf(f, Join(d), name) ==
            if d == [] then f.dec(name) else Render(Parsed(false, Push(false, d, f.dec(name))))
  {
    var x := f.dec(name);
    SplitSlashFree(name);
    assert Map(f.dec, [name]) == [x];
    assert Join([x]) == x;
    if d != [] {
      JoinHead(d);
      SplitConcat(Join(d), x);
      SplitJoin(d);
      SplitSlashFree(x);
      PushAllConcat(false, [], d, [x]);
      PushAllClean(false, [], d);
      assert [] + d == d;
      assert PushAll(false, d, [x]) == Push(false, d, x);
    }
  }

  lemma {:induction false} RemoteLands(f: Fs, d: seq<string>, name: string)
    requires AllNames(d) && IsName(name) && Segment(f.dec(name))
    ensures Segs(f, RemoteOf(f, Join(d), name)) == Landed(f, d, f.dec(name))
  {
    var x := f.dec(name);
    RemoteOfName(f, d, name);
    if d == [] {
      SplitSlashFree(x);
      assert x[0] in x;
      assert CleanRoot(f) + d == CleanRoot(f);
      assert PushAll(RootIsAbsolute(f), CleanRoot(f), [x]) == Push(RootIsAbsolute(f), CleanRoot(f), x);
    } else {
      PushBelow(f, d, x);
      RenderedLands(f, Push(false, d, x));
    }
  }

  /** Below a directory a pushed segment never reaches into the root. */
  lemma PushBelow(f: Fs, d: seq<string>, x: string)
    requires AllNames(d) && d != [] && Segment(x)
    ensures AllNames(Push(false, d, x))
    ensures CleanRoot(f) + Push(false, d, x) == Push(RootIsAbsolute(f), CleanRoot(f) + d, x)
  {
    var c := CleanRoot(f);
    assert (c + d)[|c| + |d| - 1] == d[|d| - 1];
    assert (c + d)[..|c| + |d| - 1] == c + d[..|d| - 1];
    assert c + d + [x] == c + (d + [x]);
  }

  lemma {:induction false} RenderedLands(f: Fs, segs: seq<string>)
    requires AllNames(segs)
    ensures Segs(f, Render(Parsed(false, segs))) == Kept(Parsed(RootIsAbsolute(f), CleanRoot(f) + segs))
  {
    SplitRender(Parsed(false, segs));
    if segs == [] {
      assert CleanRoot(f) + segs == CleanRoot(f);
      assert PushAll(RootIsAbsolute(f), CleanRoot(f), ["."]) == CleanRoot(f);
    } else {
      JoinHead(segs);
      KeepAll(segs);
      PushAllKeep(RootIsAbsolute(f), CleanRoot(f), segs);
    }
  }

  /** When pushing the decoded name on the listed directory appends exactly it: always
      for a name below the root, for a name at the root when cleaning leaves the root
      alone, and for a dot segment only at a relative root that has nothing to leave. */
  predicate Appends(f: Fs, d: seq<string>, x: string) {
    if IsName(x) then d != [] || RootSegs(f) == CleanRoot(f)
    else
      var c := CleanRoot(f);
      && d == [] && !RootIsAbsolute(f) && RootSegs(f) == c
      && (c == [] || (x == ".." && c[|c| - 1] == ".."))
  }

  lemma LandedAppends(f: Fs, d: seq<string>, x: string)
    requires AllNames(d) && Segment(x)
    ensures |Landed(f, d, x)| == |Base(f, d)| + 1 <==> Appends(f, d, x)
    ensures Appends(f, d, x) ==> Landed(f, d, x) == Base(f, d) + [x]
  {
    CleanRootShorter(f);
    ParseCanonical(f.root);
    if d == [] {
      assert CleanRoot(f) + d == CleanRoot(f);
    } else {
      PushBelow(f, d, x);
    }
  }

  /** For any root and any encoder that keeps the directory's and the remote's segments
      intact: a listed remote addresses its entry's own wire path exactly when the name
      is one the encoder reproduces and its decoded form is appended to the directory. */
  lemma {:induction false} ListedRemoteAddressesEntry(f: Fs, d: seq<string>, name: string)
    requires AllNames(d) && IsName(name) && Segment(f.dec(name)) && f.enc("") == ""
    requires Intact(f, Join(d)) && Intact(f, RemoteOf(f, Join(d), name))
    ensures var child := WireSegs(AbsPath(f, Join(d))) + [name];
            AbsPath(f, RemoteOf(f, Join(d), name)) == Abs(child) <==>
            f.enc(f.dec(name)) == name && Appends(f, d, f.dec(name))
  {
    var x := f.dec(name);
    RemoteAddress(f, d, name);
    AddressNames(f, d);
    LandedAppends(f, d, x);
    SameAddress(f.enc, Landed(f, d, x), Base(f, d), x, name);
  }

  lemma {:induction false} RemoteAddress(f: Fs, d: seq<string>, name: string)
    requires AllNames(d) && IsName(name) && Segment(f.dec(name)) && f.enc("") == ""
    requires Intact(f, RemoteOf(f, Join(d), name))
    ensures var landed := Map(f.enc, Landed(f, d, f.dec(name)));
            AllNames(landed) && AbsPath(f, RemoteOf(f, Join(d), name)) == Abs(landed)
  {
    var remote := RemoteOf(f, Join(d), name);
    RemoteLands(f, d, name);
    AddressSegsIff(f, remote);
    AbsPathCanonical(f, remote);
  }

  lemma {:induction false} SameAddress(g: string -> string, segs: seq<string>, pre: seq<string>, x: string, name: string)
    requires AllNames(Map(g, segs)) && AllNames(Map(g, pre)) && IsName(name)
    requires |segs| == |pre| + 1 ==> segs == pre + [x]
    ensures Abs(Map(g, segs)) == Abs(Map(g, pre) + [name]) <==> |segs| == |pre| + 1 && g(x) == name
  {
    AbsInjective(Map(g, segs), Map(g, pre) + [name]);
    LastOfMap(g, segs, pre, x, name);
  }

  lemma LastOfMap(g: string -> string, segs: seq<string>, pre: seq<string>, x: string, name: string)
    requires |segs| == |pre| + 1 ==> segs == pre + [x]
    ensures Map(g, segs) == Map(g, pre) + [name] <==> |segs| == |pre| + 1 && g(x) == name
  {
  }

  /** What the condition guards against: were a wire name to decode to a dot segment,
      its remote would lead elsewhere, "." back to the listed directory, ".." to its
      parent. */
  lemma {:induction false} DotNameLeadsElsewhere(f: Fs, d: seq<string>, s: string, name: string)
    requires AllNames(d) && IsName(s) && IsName(name)
    ensures f.dec(name) == "." ==> RemoteOf(f, Join(d + [s]), name) == Join(d + [s])
    ensures f.dec(name) == ".." && d != [] ==> RemoteOf(f, Join(d + [s]), name) == Join(d)
  {
    if f.dec(name) == "." || f.dec(name) == ".." { RemoteOfName(f, d + [s], name); }
  }

  lemma ChildIsListed(f: Fs, dir: string, parent: seq<string>, child: seq<string>, e: Entry)
    requires AllNames(parent) && AllNames(child) && EntryPath(e) == Some(Abs(child))
    ensures ImmediateChildRemote(f, dir, Abs(parent), e) ==
            if OneBelow(child, parent) then Some(RemoteOf(f, dir, child[|parent|])) else None
  {
    AbsCleanPath(child);
    FilterIsParenthood(child, parent);
  }

  /** For any root and any encoder that keeps the directory's and the name's segments
      intact: an entry stored at the address of dir/name is listed as dir/name exactly
      when the name comes back from its encoding and the directory is below the root or
      cleaning leaves the root alone. */
  lemma {:induction false} AddressedEntryIsListed(f: Fs, d: seq<string>, name: string, e: Entry)
    requires AllNames(d) && IsName(name) && Segment(f.dec(f.enc(name))) && f.enc("") == ""
    requires Intact(f, Join(d)) && Intact(f, Join(d + [name]))
    requires EntryPath(e) == Some(AbsPath(f, Join(d + [name])))
    ensures ImmediateChildRemote(f, Join(d), AbsPath(f, Join(d)), e) == Some(Join(d + [name])) <==>
            f.dec(f.enc(name)) == name && (d != [] || RootSegs(f) == CleanRoot(f))
  {
    var parent, child := Map(f.enc, Base(f, d)), Map(f.enc, Base(f, d + [name]));
    AddressNames(f, d);
    AddressNames(f, d + [name]);
    ChildIsListed(f, Join(d), parent, child, e);
    AddressedOneBelow(f, d, name);
    if OneBelow(child, parent) {
      assert IsName(child[|parent|]);
      RemoteOfAddressed(f, d, name);
    }
  }

  /** A witness: under the root "a/.." no entry stored for a name is in the root's
      listing. */
  lemma {:induction false} ChangedRootHidesEntry(f: Fs, name: string, e: Entry)
    requires f.root == "a/.." && f.enc("") == "" && IsName(name) && Intact(f, "") && Intact(f, name)
    requires EntryPath(e) == Some(AbsPath(f, name))
    ensures ImmediateChildRemote(f, "", AbsPath(f, ""), e) == None
  {
    assert [] + [name] == [name] && Join([name]) == name;
    AddressNames(f, []);
    AddressNames(f, [name]);
    AddressedOneBelow(f, [], name);
    RootIsChanged(f);
    ChildIsListed(f, "", Map(f.enc, Base(f, [])), Map(f.enc, Base(f, [name])), e);
  }

  lemma RootIsChanged(f: Fs)
    requires f.root == "a/.."
    ensures RootSegs(f) != CleanRoot(f)
  {
    SplitConcat("a", "..");
    SplitSlashFree("a");
    SplitSlashFree("..");
    assert "a" + "/" + ".." == f.root;
    assert Split(f.root) == ["a", ".."];
    KeepAll(["a", ".."]);
    assert PushAll(false, [], ["a", ".."]) == PushAll(false, ["a"], [".."]) == [];
  }

  lemma AddressedOneBelow(f: Fs, d: seq<string>, name: string)
    ensures var parent, child := Map(f.enc, Base(f, d)), Map(f.enc, Base(f, d + [name]));
            && (OneBelow(child, parent) <==> d != [] || RootSegs(f) == CleanRoot(f))
            && (OneBelow(child, parent) ==> child[|parent|] == f.enc(name))
  {
    CleanRootShorter(f);
    if d != [] || RootSegs(f) == CleanRoot(f) {
      assert Base(f, d + [name]) == Base(f, d) + [name];
      assert Map(f.enc, Base(f, d + [name])) == Map(f.enc, Base(f, d)) + [f.enc(name)];
    }
  }

  lemma {:induction false} AddressNames(f: Fs, d: seq<string>)
    requires AllNames(d) && f.enc("") == "" && Intact(f, Join(d))
    ensures AllNames(Map(f.enc, Base(f, d)))
    ensures WireSegs(AbsPath(f, Join(d))) == Map(f.enc, Base(f, d))
    ensures AbsPath(f, Join(d)) == Abs(Map(f.enc, Base(f, d)))
  {
    AbsPathOfNames(f, d);
    AbsPathCanonical(f, Join(d));
  }

  lemma {:induction false} RemoteOfAddressed(f: Fs, d: seq<string>, name: string)
    requires AllNames(d) && IsName(name) && IsName(f.enc(name)) && Segment(f.dec(f.enc(name)))
    ensures RemoteOf(f, Join(d), f.enc(name)) == Join(d + [name]) <==> f.dec(f.enc(name)) == name
  {
    var x := f.dec(f.enc(name));
    RemoteOfName(f, d, f.enc(name));
    if d == [] {
      assert d + [name] == [name] && Join([name]) == name;
    } else {
      PushBelow(f, d, x);
      ParseRender(Parsed(false, Push(false, d, x)));
      ParseRender(Parsed(false, d + [name]));
      PushIsAppend(d, x, name);
    }
  }

  lemma PushIsAppend(d: seq<string>, x: string, name: string)
    requires IsName(name)
    ensures Push(false, d, x) == d + [name] <==> x == name
  {
    assert x != name ==> (d + [name])[|d|] != (d + [x])[|d|];
  }
}
